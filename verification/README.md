# Verified model of ScopeCall

ScopeCall records LLM calls in customer programs and shows what they cost. This project models its stateful cores and
proves what they promise:

- **Processor** (`Processor`, `Consumer`): the crash/replay protocol between the event log, ClickHouse, the dead-letter
  queue and the offset file, as a transition system with a crash possible between any two steps, and the loop's code.
- **API keys** (`KeyCache`, `KeyAuth`): the timed race of key lookups with revocation over a positive and a negative
  Redis cache; the in-flight delay is a parameter.
- **Alerts** (`Alerts`, `AlertEvaluator`): the hysteresis machine run by any number of replicas under a try-lock.
- **Treemap** (`Treemap`): the recursive rectangle layout over exact reals.
- **Traces** (`TraceEmission`, `TraceRoundTrip`, `PyTracing`, `SpanForest`, `TraceDepth`): the rows nested trace blocks
  emit in both SDKs against where their spans sit in the nesting, and the gantt's memoised depth computation on them.
- **Exporters** (`CircularBuffer`, `BatchDelivery`, `Exporter` for TypeScript; `ThreadedDelivery`, `PyExporter` for
  Python; `Ledger` for what both account for): bounded queues, batches, retries, flush and close.
- **Pricing** (`Pricing`, `Enrichment`): server prices, their rounding, agreement with the SDK, repricing.
- **Luhn** (`Luhn`): the card-number checksum, written twice.

`Runs` holds the vocabulary of runs of a transition system, `Prelude` the stock result types. A protocol is a partial
step function; failures, interleavings and the clock are in the action. Code that changes state is a class or a method
performing steps of the protocol in lockstep, while other threads, replicas or callers take arbitrary steps at every
point where the code waits.

## Where the code and its documentation disagree

The model follows the code.

- The comment at `services-rust/processor/src/enricher.rs:117` says a container's pricing version stays None. It keeps
  what the SDK sent (`ContainersAreNeutral`, `RepriceIgnoresSdkMoney`). Likewise the components of an unknown model keep
  the SDK's values (`enricher.rs:144-145`).
- `sdks/typescript/src/index.ts:88` promises that `flush` resolves when the queue is empty. Events recorded while it
  resolves may be in the queue; what was accepted before the call has left it, unless the flush ran out of time, exactly
  if it does not join a drain that has exited with events queued behind it (`FlushPromiseExactly`). `close` inherits
  the gap (`CloseEmptiesExactly`, `CloseMayLeaveEvents`). The message at `exporter.ts:153` calls the events left by a
  timeout dropped; they stay queued. With a batch size below one only the deadline ends a drain
  (`OnlyTheDeadlineEndsIt`).
- `sdks/python/scopecall/_exporter.py:127-130` promises that `flush` returns once every event is posted. After one
  overflow eviction it never returns before its deadline again (`EvictionDelaysEveryFlush`). `close` is to drain
  remaining events (line 147); it ships at most two more batches (`CloseLeavesTheRest`, `ShutdownShipsAtMostRoom`), and
  events recorded after it are still taken into the queue.
- `sdks/python/scopecall/_sdk.py:110` says the precedence matches the TypeScript contract. A null cannot clear an
  inherited value in Python, and `or` skips empty names and versions; on which programs the two agree is
  `SdksAgreeExactly`.
- In TypeScript an explicit null prompt version clears the enclosing block's, but the configured default still applies
  (`sdks/typescript/src/instrumentation/openai.ts:417-419`), as `Agrees` states.
- `services-go/api/internal/handler/api_keys.go:288-291` says ingest stops accepting a revoked key immediately. It does
  from the moment the marker is set, if Redis answers and lookups finish within 240 seconds
  (`RevocationWinsExactlyUpTo240Seconds`); with Redis failing, after 60 seconds plus the lookup time.
- `services-go/api/internal/alerts/evaluator.go:138-139` says an alert resolves below 0.9 of the threshold; at 0.9 it
  resolves too.

## Model

| member | source | states |
|---|---|---|
| Processor.NoLoss | services-rust/processor/src/consumer.rs:111-273 | in every reachable state - crashes between any steps, inserts failing after landing in part, failing saves, unreadable offset file - each well-formed record at or below the stored offset has its row in the table, an envelope in the DLQ, or went through the logged DLQ failure |
| Processor.WatermarkIsSafe | services-rust/processor/src/consumer.rs:100-177 | once a process has read or written the offset file, across bad records, size and tick flushes and idle ticks, the stored offset is strictly below every buffered one and never moves back; at the loop head the buffer is below the flush threshold |
| Processor.StartKeepsWatermarkExactly | services-rust/processor/src/consumer.rs:66-82 | for every reachable stopped state and start: however long the started process runs, what it buffers stays above what is stored, exactly if the file was read or is absent, or batches are of one event, or no record up to the stored offset is well formed |
| Processor.StartKeepsOffsetExactly | services-rust/processor/src/offset_store.rs:63-103 | for every reachable stopped state with a stored offset and every start: nothing the started process does stores less, exactly if the file was read or holds zero |
| Processor.UnreadableFileBuffersBelowWatermark | services-rust/processor/src/offset_store.rs:63-82 | such harm is reachable: a record stored, a crash, an unreadable file, and the record is buffered below the stored offset |
| Processor.ReplayIsInvisible | services-rust/processor/src/consumer.rs:187-198 | deduplicated by key, the table only ever shows rows of the crash-free result, all of them up to the stored offset while nothing was dead-lettered or lost, and equals it at the end of the log |
| Processor.ShownRowsAreCrashFree | services-rust/processor/src/consumer.rs:189-195 | the soundness half: no replay, partial batch or retry shows a row the crash-free run would not |
| Processor.NothingIsMissing | services-rust/processor/src/consumer.rs:233-272 | the completeness half: every key at or below the stored offset is shown |
| Processor.CrashResumesAfterTheFile | services-rust/processor/src/consumer.rs:66-82 | whatever a crash leaves in the offset file - its value, an earlier one, nothing - the stores are as they were, and a start that can read it resumes right after it with everything before settled |
| Processor.StepKeepsInv | services-rust/processor/src/consumer.rs:111-179 | every step, crash and restart included, keeps the invariant: what the disk may say is safe to resume from, and nothing consumed is forgotten |
| Processor.FlushKeepsInv | services-rust/processor/src/consumer.rs:222-237 | draining the buffer carries every buffered event into the batch in flight and fixes the offset to store above all of them |
| Processor.RowKeepsInv | services-rust/processor/src/dlq.rs:118-137 | a row retry, failing before or after it landed, keeps the invariant up to the last attempt |
| Processor.DeadLetterKeepsInv | services-rust/processor/src/dlq.rs:139-157 | a dead-letter send settles its event whether or not it succeeds, and failure is recorded as a loss |
| Processor.DeployedConfigKeepsKeys | services-rust/processor/src/enricher.rs:81-89 | enrichment as deployed leaves every event's deduplication key alone, which replay needs |
| Consumer.OffsetStore.Load | services-rust/processor/src/offset_store.rs:63-82 | a file that can be read counts for a nonnegative number in it; a missing, garbled or negative file, or one that cannot be read, counts as none |
| Consumer.OffsetStore.Save | services-rust/processor/src/offset_store.rs:88-103 | however far it gets - no directory, a torn write, a refused rename - the file holds the old offset; it holds the new one exactly if everything works |
| Consumer.ClickHouseWriter.InsertBatch | services-rust/processor/src/writer.rs:94-181 | fails exactly if a row's write or the commit does; success appends the row of every event in order, a failure may have appended any prefix of them; each row holds its event field by field: key, kind, model, tokens, money with a missing part as zero, texts and the copied fields |
| Consumer.DlqProducer.Send | services-rust/processor/src/dlq.rs:75-100 | success exactly on acknowledgement; the envelope is in the topic unless it was refused, so a reported failure may have landed |
| Consumer.ConsumerLoop.constructor | services-rust/processor/src/consumer.rs:60-107 | from any reachable stopped state start-up is a protocol run to the loop head, resuming right after the stored offset if there is one and the file can be read, from the beginning otherwise; nothing at or below the offset is missing |
| Consumer.ConsumerLoop.WriteWithRetry | services-rust/processor/src/dlq.rs:108-157 | as many attempts as the first good one takes, at most 3; afterwards the event is settled, and it is dead-lettered or lost exactly if three attempts fail |
| Consumer.ConsumerLoop.RetryEach | services-rust/processor/src/consumer.rs:254-260 | after the per-event fallback every event of the batch is settled |
| Consumer.ConsumerLoop.WriteBatch | services-rust/processor/src/consumer.rs:244-262 | after the insert and its fallback every event of the batch is settled; if the insert succeeds its rows are appended and nothing else changes |
| Consumer.ConsumerLoop.Flush | services-rust/processor/src/consumer.rs:211-273 | a flush is a protocol run that empties the buffer, settles everything that was in it, and hands the file the highest offset seen if there is one |
| Consumer.ConsumerLoop.OnRecord | services-rust/processor/src/consumer.rs:130-159 | a record moves the watermark, is skipped if bad, else buffered, and flushed with the rest at the threshold; the state stays reachable, so no-loss and invisible replays hold of the stores afterwards |
| Consumer.ConsumerLoop.OnTick | services-rust/processor/src/consumer.rs:162-176 | a tick settles what was buffered and hands the file the highest offset seen, also when only bad records moved it; no-loss and invisible replays hold afterwards |
| Consumer.ConsumerLoop.OnStreamEnd | services-rust/processor/src/consumer.rs:120-125 | the end of the stream settles what was buffered and hands over its offset before the process exits; no-loss and invisible replays hold afterwards |
| Consumer.Conclude | services-rust/processor/src/consumer.rs:187-198 | whatever a run of this code does from a reachable state, everything up to the stored offset is settled and readers see only crash-free rows |
| KeyCache.RevocationWinsExactlyUpTo240Seconds | services-go/api/internal/handler/api_keys.go:343-357 | in every reachable state of every interleaving no accepted request had its negative check answered after the marker was set - also after the marker expired and the row was collected - exactly when lookups act on their Postgres read within 300 - 60 seconds |
| KeyCache.StaleWriteOutlivesMarker | services-rust/ingest/src/auth.rs:66-70 | for every longer delay a run in which a stale positive entry, written by a call that was answered or cancelled, outlives the marker and lets a revoked key in whose row is already collected |
| KeyCache.BoundedStaleness | services-rust/ingest/src/auth.rs:47-85 | whatever Redis does, a key accepted at t was active for that organisation no earlier than t minus 60 s minus the delay |
| KeyCache.EventuallyRejected | services-rust/ingest/src/auth.rs:47-85 | nothing is accepted later than 60 s plus the delay after the revocation |
| KeyCache.HitIsFresh | services-rust/ingest/src/auth.rs:56-63 | a cache hit is on an entry within its 60 s, and after the marker's expiry there is nothing left to hit |
| KeyCache.StoreKeepsEntrySound | services-rust/ingest/src/auth.rs:66-70 | a cache write within the delay of a read of the active key keeps the entry's expiry bounded by the revocation time |
| KeyCache.StepKeepsInv | services-rust/ingest/src/auth.rs:40-138 | the bookkeeping of cache, marker and requests survives every step of every request, the revoker, clean-up and the clock |
| KeyAuth.LookupPostgres | services-rust/ingest/src/auth.rs:112-138 | accepts exactly if Postgres answers with an unrevoked row whose scopes are NULL or contain ingest:write; otherwise unauthorized, or an internal error if it did not answer |
| KeyAuth.ExistsRevoked | services-rust/ingest/src/auth.rs:49-54 | rejects exactly if Redis answers and a live marker is there; a failed command counts as not revoked |
| KeyAuth.GetPositive | services-rust/ingest/src/auth.rs:60-63 | hits exactly if Redis answers and a live entry is there, with its organisation, and does not extend it |
| KeyAuth.FromPostgres | services-rust/ingest/src/auth.rs:65-83 | without a cached entry the answer is exactly what Postgres says; acceptance means no marker had been set when the query began; with Redis connected and storing, the entry then has its full 60 s |
| KeyAuth.ResolveKey | services-rust/ingest/src/auth.rs:40-86 | the answer is determined by what the outside answers and what the call meets: a live marker at an answered EXISTS rejects, else a live entry at an answered GET accepts, else Postgres decides; so a key served by Postgres throughout is accepted for its organisation, with or without Redis, an accepted key was recently active, and once the marker is set acceptance needs an unanswered negative check |
| KeyAuth.Attempt | services-rust/ingest/src/auth.rs:40-86 | the command sequence: the three moments of EXISTS, GET and query lie in order on the run, and the answer is the one they call for; a connection that fails goes straight to Postgres |
| KeyAuth.ServedThroughout | services-rust/ingest/src/auth.rs:40-86 | a key Postgres serves at the end of a call, and had at its start, was served at every moment of it; no marker was live, and a live entry could only name its own organisation |
| KeyAuth.RevokeKey | services-go/api/internal/handler/api_keys.go:315-357 | succeeds exactly on an existing unrevoked row, which from then on is revoked or collected; if Redis carries out the commands the cached entry is gone after the first and the marker stands for its full 300 s after the second; otherwise no marker appears and nothing is tried again |
| Alerts.ReplicasActAsOne | services-go/api/internal/alerts/evaluator.go:80-118 | for any interleaving of replicas, with inserts and resolves that commit but report errors, each rule's events, fires and resolves are those of one evaluator fed the readings that took effect; at most one event is open and it is the last; fires and resolves strictly alternate |
| Alerts.OneEvaluatorPerRule | services-go/api/internal/alerts/store.go:108-138 | two replicas never evaluate one rule at the same time |
| Alerts.LockedExactlyWhileEvaluated | services-go/api/internal/alerts/store.go:108-138 | in every reachable state a rule's lock is taken exactly while some replica is at a rule with that key: whoever finishes, fails or crashes frees it |
| Alerts.FiresExactlyAfterRecovery | services-go/api/internal/alerts/evaluator.go:151-185 | a reading fires exactly when it is above the threshold and after every earlier fire some reading was at or below 0.9 of it |
| Alerts.OpenExactly | services-go/api/internal/alerts/evaluator.go:135-185 | for a positive threshold, one more reading leaves the rule open exactly if it is above the threshold, or the rule was open and it is above 0.9 of the threshold |
| Alerts.OpenAfterEvaluation | services-go/api/internal/alerts/evaluator.go:151-185 | the same for one evaluation of any events: an event is opened, with the value, exactly on a reading above the threshold with none open; no other event changes except by closing |
| Alerts.EventsAreSeparated | services-go/api/internal/alerts/evaluator.go:137-187 | between the readings of two consecutive events lies one at or below 0.9 of the threshold |
| Alerts.NoFlapping | services-go/api/internal/alerts/evaluator.go:120-135 | readings that never drop that low produce at most one event |
| Alerts.SequentialIsTidy | services-go/api/internal/alerts/evaluator.go:155-185 | at most one event is open, always the last; one event per fire; the rule is open exactly as the hysteresis says |
| Alerts.ChangesAlternate | services-go/api/internal/alerts/evaluator.go:155-185 | fires and resolves strictly alternate, a fire first; an event is open exactly while the last change is a fire |
| Alerts.FiringAndRecoveredExclude | services-go/api/internal/alerts/store.go:157-164 | firing and recovered exclude each other exactly for non-negative thresholds |
| Alerts.EventIsFire | services-go/api/internal/alerts/store.go:312-323 | the k-th event carries the value of the k-th firing reading |
| Alerts.StepKeepsInv | services-go/api/internal/alerts/evaluator.go:100-116 | locks, tasks and histories stay consistent under every step of every replica, whatever two rules' lock keys collide |
| AlertEvaluator.Settle | services-go/api/internal/alerts/evaluator.go:155-185 | the decision takes effect exactly if nothing was to be done or the statement commits, and then moves the events by one evaluation |
| AlertEvaluator.OpenEventForRule | services-go/api/internal/alerts/store.go:296-310 | a successful query tells exactly whether the rule has an open event |
| AlertEvaluator.EvaluateRule | services-go/api/internal/alerts/evaluator.go:140-187 | under the lock, with other replicas running: if the value and the open event are had and the statement commits, an event is open afterwards exactly if the value is above the threshold, or one was open and the value is above 0.9 of it; in every other case the events stay as they are |
| AlertEvaluator.MovesAreLawful | services-go/api/internal/alerts/evaluator.go:151-185 | every move of a rule's events that the protocol allows obeys that law |
| AlertEvaluator.RunRule | services-go/api/internal/alerts/evaluator.go:88-116 | with a connection and a free lock the rule is evaluated, otherwise nothing changes; no lock is held afterwards |
| AlertEvaluator.RunOnce | services-go/api/internal/alerts/evaluator.go:80-118 | every listed rule is dealt with in turn, each from a state reached from the end of the turn before, whatever became of the others |
| AlertEvaluator.CreateRule | services-go/api/internal/alerts/store.go:157-164 | a rule comes to exist exactly with a positive threshold, and without events |
| Treemap.TilesPartition | services-dashboard/src/components/overview/workflow-treemap.tsx:36-73 | for nonnegative costs every point of the rectangle is covered by exactly one tile, every other point by none |
| Treemap.TilesInsideAndDisjoint | services-dashboard/src/components/overview/workflow-treemap.tsx:36-73 | every point of a tile lies in the rectangle and in no other tile |
| Treemap.TilesWithinAndApart | services-dashboard/src/components/overview/workflow-treemap.tsx:36-73 | every tile, also of a free item, has nonnegative sides and lies within the rectangle, and of any two tiles one lies to one side of the other |
| Treemap.EveryTileHasItsShare | services-dashboard/src/components/overview/workflow-treemap.tsx:54-72 | a tile's area is its cost over the total cost, times the whole area |
| Treemap.TileHasDensity | services-dashboard/src/components/overview/workflow-treemap.tsx:59-72 | with d area per dollar in the whole, each tile has d area per dollar |
| Treemap.OneTilePerItem | services-dashboard/src/components/overview/workflow-treemap.tsx:36-73 | one tile per item, in order |
| Treemap.FallbackExactly | services-dashboard/src/components/overview/workflow-treemap.tsx:41-52 | the fallback split is taken exactly when the last item outweighs half of the total |
| Treemap.SortedListsNeedNoFallback | services-dashboard/src/components/overview/workflow-treemap.tsx:134-141 | on the filtered, sorted lists the page lays out, the scan finds the least prefix reaching half and the fallback is dead |
| Treemap.PartsPartition | services-dashboard/src/components/overview/workflow-treemap.tsx:59-72 | a cut within the longer side splits a rectangle into two whose points are disjoint and exhaust it |
| Treemap.FindSplit | services-dashboard/src/components/overview/workflow-treemap.tsx:40-52 | the scan with its accumulator finds the least proper prefix whose cost reaches half, else 1 |
| Treemap.Split | services-dashboard/src/components/overview/workflow-treemap.tsx:54-72 | split index and the two rectangles: cut across the longer side, the first keeping the origin and taking of that side the share its items have of the total cost, or half of it if all are free |
| Treemap.LayoutTiles | services-dashboard/src/components/overview/workflow-treemap.tsx:36-73 | the recursive code terminates and returns the specified layout |
| TraceRoundTrip.EmittedRowsFormTheForest | sdks/typescript/src/index.ts:150-202 | for every program of nested blocks and calls, throwing or not: rows agree one by one with the block nesting, a row has failed exactly if its own block or call threw and has its block's kind, ids are distinct, every parent id names an emitted container of the same trace, name, version and customer are those of the nearest block that set them, null included, before the configured defaults |
| SpanForest.SittingRowsFormAForest | sdks/typescript/src/index.ts:283-297 | rows that sit where the nesting of blocks says have distinct ids, and every parent id names a block row of the same trace |
| TraceRoundTrip.ProgramAgrees | sdks/typescript/src/context.ts:94-127 | contexts passed down compute, for each row, parent, trace, kind, failure and attribution as defined by the nesting alone |
| TraceRoundTrip.BlockAgrees | sdks/typescript/src/index.ts:306-330 | a block's row sits where the block sits, has its kind and name, has failed exactly if its body threw, and carries its own scope's attribution |
| TraceRoundTrip.CallAgrees | sdks/typescript/src/instrumentation/openai.ts:374-420 | a call's row has failed exactly if the call did and hangs under the innermost block with that block's name and attribution; outside all blocks it is a trace of its own with the configured defaults |
| TraceRoundTrip.EnteredContextAgrees | sdks/typescript/src/context.ts:99-125 | an explicit option wins, null included; otherwise the enclosing block's value is inherited |
| SpanForest.ProgramWellPlaced | sdks/typescript/src/index.ts:180-187 | every block around a span has a span of its own, since blocks emit whether or not they throw |
| SpanForest.ChainIsNesting | services-dashboard/src/components/traces/trace-gantt.tsx:24-44 | in the parent relation rebuilt from the rows, a span's ancestor chain is as long as its nesting |
| TraceRoundTrip.DepthsFromRows | services-dashboard/src/components/traces/trace-gantt.tsx:26-44 | the gantt's depth of every span is exactly its nesting depth, in whatever order the rows come back |
| TraceEmission.Sdk.Execute | sdks/typescript/src/index.ts:150-188 | at run time a statement appends exactly its rows to the queue and restores the current context, also when it throws |
| TraceEmission.Sdk.Run | sdks/typescript/src/index.ts:150-202 | the same for a whole program |
| PyTracing.SdksAgree | sdks/python/scopecall/_sdk.py:106-155 | Python emits what TypeScript emits with every explicit null left out, exactly if that program is alike for both |
| PyTracing.NullIsAbsent | sdks/python/scopecall/_sdk.py:110-121 | Python cannot tell a null from nothing, for any program |
| PyTracing.PyRowsFormTheForest | sdks/python/scopecall/_sdk.py:157-199 | for every program, calls outside all blocks and empty strings included: the rows form a forest, sit where their spans sit, have failed exactly if their own block or call raised, and carry the name of the innermost block and the customer and version of the nearest block that gives one, then the configured defaults, which also replace an empty name and, in a call, an empty version |
| PyTracing.PyBlockAgrees | sdks/python/scopecall/_sdk.py:106-155 | a block's row sits where the block sits and has its kind, name, failure and attribution |
| PyTracing.DepthsFromPyRows | services-dashboard/src/components/traces/trace-gantt.tsx:26-44 | the gantt gives every span of a Python program its nesting depth, in any row order |
| PyTracing.SdksAgreeExactly | sdks/python/scopecall/_sdk.py:106-155 | on one and the same program, whatever it is, both SDKs emit the same rows exactly if every executed block and call is alike: nulls clear nothing, names are not empty, calls are inside a block, and no empty version is skipped - or the configured default is empty too |
| PyTracing.NullClearsOnlyInTypeScript | sdks/python/scopecall/_sdk.py:108-121 | an instance of the difference: an inner block passing None keeps the outer customer in Python and clears it in TypeScript |
| PyTracing.PySdk.Execute | sdks/python/scopecall/_sdk.py:136-155 | push, body, pop, emit: exactly the statement's rows, and the context variable is restored also on an exception |
| PyTracing.PySdk.Push | sdks/python/scopecall/_context.py:116-123 | the token is the context before |
| PyTracing.PySdk.Pop | sdks/python/scopecall/_context.py:126-136 | the context is what the token remembers |
| TraceDepth.ComputeDepths | services-dashboard/src/components/traces/trace-gantt.tsx:26-44 | every span gets a depth: the length of its ancestor chain if finite, whatever the visiting order, and never more than the number of distinct ids, cycles or not |
| TraceDepth.Depths.DepthOf | services-dashboard/src/components/traces/trace-gantt.tsx:29-41 | the memoised recursion with its cycle guard terminates, keeps the cache right and returns the chain length where there is one |
| TraceDepth.FiniteChainsExactlyWhenAcyclic | services-dashboard/src/components/traces/trace-gantt.tsx:24-44 | every span has a finite ancestor chain exactly when no span is its own ancestor |
| TraceDepth.CyclesHaveNoRoot | services-dashboard/src/components/traces/trace-gantt.tsx:31 | where the cycle guard answers there is no chain length to get wrong |
| CircularBuffer.CircularBuffer.Enqueue | sdks/typescript/src/exporter.ts:23-32 | the contents become the newest elements that fit, in order |
| CircularBuffer.CircularBuffer.Dequeue | sdks/typescript/src/exporter.ts:34-44 | takes the oldest elements, up to the count, in order and leaves the rest; a count of zero or less takes none |
| CircularBuffer.CircularBuffer.TakeOldest | sdks/typescript/src/exporter.ts:37-42 | one turn takes the oldest element and clears its slot |
| CircularBuffer.Overwritten | sdks/typescript/src/exporter.ts:24-31 | writing into a full ring drops the oldest element and appends the new one |
| BatchDelivery.EveryEventIsAccountedFor | sdks/typescript/src/exporter.ts:129-206 | in any interleaving: batches settled and in flight are accepted events in order, none in two; accepted = settled + in flight + queued + evicted; a batch is delivered exactly if its last answer was good, rejected exactly if that was a 4xx other than 429, and otherwise sent exactly maxRetries + 1 times; none is sent more often |
| BatchDelivery.BurstKeepsTheNewest | sdks/typescript/src/exporter.ts:129-132 | a burst of events leaves the newest that fit |
| BatchDelivery.FlushPromiseExactly | sdks/typescript/src/exporter.ts:141-146 | everything accepted before a flush has left the queue when it returns in time, exactly unless it joined an exited drain with events queued |
| BatchDelivery.CloseEmptiesTheQueue | sdks/typescript/src/exporter.ts:208-220 | when close returns in time the queue is empty, under the same condition |
| BatchDelivery.CloseEmptiesExactly | sdks/typescript/src/exporter.ts:208-220 | once closed, every return in time leaves an empty queue, exactly unless the flush joins an exited drain with events queued |
| BatchDelivery.CloseMayLeaveEvents | sdks/typescript/src/exporter.ts:208-220 | flush, record, close in one breath leaves the event unsent |
| BatchDelivery.ClosedDrainFinishes | sdks/typescript/src/exporter.ts:148-206 | after close a drain that beats its deadline takes at most a computed number of steps, can always take the next, and ends with an empty queue, whatever is called meanwhile |
| BatchDelivery.ClosedDrainIsFiniteExactly | sdks/typescript/src/exporter.ts:148-160 | its own steps are bounded exactly if batches hold at least one event or nothing is queued |
| BatchDelivery.OnlyTheDeadlineEndsIt | sdks/typescript/src/exporter.ts:150-156 | otherwise only its deadline ends a drain, whatever is called |
| BatchDelivery.EmptyBatchesNeverEnd | sdks/typescript/src/exporter.ts:148-160 | with a batch size below one and no deadline passing, a drain goes on for any number of steps and the queue stays |
| BatchDelivery.StepKeepsInv | sdks/typescript/src/exporter.ts:129-220 | every step keeps the ledger of accepted, queued, evicted and batched events |
| Exporter.ScopeCallExporter.Enqueue | sdks/typescript/src/exporter.ts:129-132 | appends to the ring unless closed |
| Exporter.ScopeCallExporter.SendOnce | sdks/typescript/src/exporter.ts:170-193 | a batch is to be sent again exactly if attempts are left and the transport threw or answered neither well nor with a status from 400 to 499 other than 429; else it is settled with that answer and that number of sends |
| Exporter.ScopeCallExporter.SendWithRetry | sdks/typescript/src/exporter.ts:162-206 | a protocol run that settles exactly this batch, soundly in the sense above, with other callers running in between |
| Exporter.ScopeCallExporter.TakeBatch | sdks/typescript/src/exporter.ts:148-158 | the batch is the oldest events, as many as the batch size allows, and the rest stays queued |
| Exporter.ScopeCallExporter.DrainOnce | sdks/typescript/src/exporter.ts:148-160 | leaves an empty queue or has run out of time |
| Exporter.ScopeCallExporter.Flush | sdks/typescript/src/exporter.ts:141-146 | single flight: joins a drain in flight, else drains; then, in time, everything accepted before is gone |
| Exporter.ScopeCallExporter.Close | sdks/typescript/src/exporter.ts:208-220 | closed; and unless it joined or ran out of time the queue is empty |
| ThreadedDelivery.EveryTaskIsAccountedFor | sdks/python/scopecall/_exporter.py:98-144 | for any interleaving of producers and flush thread: unfinished_tasks = queued + in the current batch + evicted, the queue keeps its maximum, no event goes into two batches, order is kept, every offered event is accepted, refused or still being put |
| ThreadedDelivery.EarlyReturnExactly | sdks/python/scopecall/_exporter.py:137-144 | a zero counter means nothing queued or in flight; and nothing pending shows as zero exactly while nothing was evicted |
| ThreadedDelivery.EvictionDelaysEveryFlush | sdks/python/scopecall/_exporter.py:111-120 | after one eviction the counter is never zero again |
| ThreadedDelivery.CloseLeavesTheRest | sdks/python/scopecall/_exporter.py:146-183 | after shutdown with no more events recorded, the thread takes what is left of its batch and at most one or two more; the queue is drained exactly when no more than that was left |
| ThreadedDelivery.ShutdownShipsAtMostRoom | sdks/python/scopecall/_exporter.py:174-210 | with producers still recording, in any interleaving, no more events than that go into batches after shutdown |
| ThreadedDelivery.FlushThreadStops | sdks/python/scopecall/_exporter.py:174-183 | after shutdown the flush thread gets to its end |
| ThreadedDelivery.FlushThreadGoesOn | sdks/python/scopecall/_exporter.py:174-210 | until then it always has a next step, and each brings the end nearer |
| ThreadedDelivery.TaskDoneIsNeverRefused | sdks/python/scopecall/_exporter.py:208-210 | task_done is never called once too often |
| ThreadedDelivery.StepKeepsInv | sdks/python/scopecall/_exporter.py:98-210 | every atomic queue operation of every thread keeps the accounting |
| PyExporter.Enqueue | sdks/python/scopecall/_exporter.py:109-120 | a queue with room, or without a maximum, takes the event at once and changes nothing else; from a full one the oldest event is dropped if one is still there, and the event is accepted or refused as the room then is |
| PyExporter.MakeRoom | sdks/python/scopecall/_exporter.py:111-120 | what is dropped is the oldest event then queued; on a queue emptied in between the event is refused |
| PyExporter.SendBatch | sdks/python/scopecall/_exporter.py:249-272 | posts until the first good answer, at least once and at most max_retries times; it gives up earlier only when shut down, and after shutdown posts at most once; the batch is untouched by other threads |
| PyExporter.AckBatch | sdks/python/scopecall/_exporter.py:208-210 | marks each event of the batch done, once |
| PyExporter.Drain | sdks/python/scopecall/_exporter.py:185-210 | one batch per call, its tasks done whether or not it was delivered |
| PyExporter.Run | sdks/python/scopecall/_exporter.py:174-183 | the loop and its final drain are a protocol run: one drain a turn, one more after shutdown; it stops short only when its turns are used up without shutdown |
| PyExporter.Flush | sdks/python/scopecall/_exporter.py:135-144 | returning early means nothing pending and every accepted event went into a batch; a zero counter makes it return at once |
| PyExporter.Close | sdks/python/scopecall/_exporter.py:146-158 | shutdown is set for good; a second call does nothing |
| Ledger.ShippedInOrder | sdks/typescript/src/exporter.ts:34-44 | what left in batches is an in-order part of what was accepted, each event once, and the rest was evicted |
| Pricing.StoredPriceIsAccurate | services-rust/processor/src/pricing.rs:187-225 | a known model is always priced; the stored total is exactly the sum of its stored parts and within 1.5 micro-dollars of what the tokens owe: cached tokens at the cache rate if there is one, all others at the full rate |
| Pricing.StoredPartsAreAccurate | services-rust/processor/src/pricing.rs:187-225 | each stored part is its own tokens at their own rate to half a micro-dollar: uncached input, cached input, output |
| Pricing.HalvesRound | services-rust/processor/src/pricing.rs:208-224 | exactly halfway between two micro-dollars the server rounds away from zero and the SDK upwards |
| Pricing.TotalIsSumOfParts | services-rust/processor/src/pricing.rs:210-224 | rounding the sum of rounded parts changes nothing |
| Pricing.RoundingError | services-rust/processor/src/pricing.rs:208-224 | rounding moves the total by at most 1.5 micro-dollars |
| Pricing.TokensAreConserved | services-rust/processor/src/pricing.rs:194-195 | cached and uncached tokens always sum to the input tokens |
| Pricing.ServerAgreesWithSdk | sdks/typescript/src/pricing/resolve.ts:35-67 | on any table, for a known model that is no alias of the empty name, without cached tokens or a cache rate, server total and SDK price differ by at most one micro-dollar |
| Pricing.SdkPriceIsAccurate | sdks/typescript/src/pricing/resolve.ts:35-67 | the SDK's price of a known model is within half a micro-dollar of its tokens at the full rates, and zero for an unknown one |
| Pricing.SameEntryExactly | sdks/typescript/src/pricing/resolve.ts:35-40 | both sides look up the same entry exactly if the model is no alias of the empty name |
| Pricing.Pricer.Price | services-rust/processor/src/pricing.rs:160-226 | the price does not depend on which models were warned about; an unknown model is warned about at most once |
| Enrichment.RepriceIdempotent | services-rust/processor/src/enricher.rs:94-169 | repricing twice equals once, for all events, exactly when no alias leads to another alias |
| Enrichment.RepriceIgnoresSdkMoney | services-rust/processor/src/enricher.rs:94-169 | what the SDK says about money does not matter exactly for non-containers with a known model |
| Enrichment.ContainersAreNeutral | services-rust/processor/src/enricher.rs:95-120 | a container's row - of kind workflow, agent or step - carries no model, provider, tokens or cost, whatever the SDK sent, and keeps its pricing version |
| Enrichment.StoredRowKeepsTheEvent | services-rust/processor/src/writer.rs:94-135 | every row has the event's key, kind and copied fields, and its texts redacted unless empty |
| Enrichment.StoredRowKeepsTheCall | services-rust/processor/src/enricher.rs:121-134 | the row of a call has the event's provider and token counts, the table's name for its model, and the table's version |
| Enrichment.StoredRowIsPriced | services-rust/processor/src/enricher.rs:121-140 | the row of a call with a known model costs what its own token counts cost at the table's rates for its own model: each part to half a micro-dollar, the total to 1.5 |
| Enrichment.StoredRowIsFallback | services-rust/processor/src/enricher.rs:141-167 | with an unknown model the row keeps the SDK's money, and its source says whether that was above zero |
| Enrichment.EnrichKeepsKey | services-rust/processor/src/writer.rs:94-101 | enrichment never moves an event to another deduplication key |
| Enrichment.Enricher.RepriceInPlace | services-rust/processor/src/enricher.rs:94-169 | the in-place updates compute a function of the event alone |
| Enrichment.Enricher.EnrichInPlace | services-rust/processor/src/enricher.rs:81-89 | so does enrichment, for a fixed redaction |
| Luhn.LuhnCheck | sdks/typescript/src/_redactor.ts:12-26 | the loop with its flag decides the positional checksum of the digits, for every text |
| Luhn.LuhnCheckSliced | sdks/python/scopecall/_redactor.py:7-14 | the slice sums decide the same checksum |
| Luhn.SlicesMakeTheTotal | sdks/python/scopecall/_redactor.py:9-13 | the two slices together contribute exactly the positional total |
| Luhn.CheckDigit | sdks/typescript/src/_redactor.ts:12-26 | exactly one digit completes a number: ten minus the last digit of what the others contribute, counting from the right every second one, the last first, doubled |
| Luhn.DigitsInOrder | sdks/typescript/src/_redactor.ts:13 | the digits of a text are those of its parts one after the other |
| Luhn.OneWrongDigit | sdks/typescript/src/_redactor.ts:12-26 | replacing one digit of an accepted number keeps it accepted exactly if the digit is the same |
| Luhn.OneWrongCharacter | sdks/typescript/src/_redactor.ts:13 | the same for a digit character anywhere in an accepted text |
| Luhn.TwoSwappedDigits | sdks/python/scopecall/_redactor.py:7-14 | swapping neighbours of an accepted number keeps it accepted exactly if they are equal or 0 and 9 |

## Left out

- Kafka, ClickHouse, Postgres, Redis and HTTP clients: they appear only as steps that succeed, fail, or fail after taking effect.
- Log retention and offsets beyond the log's ends: the log only grows and is read from its beginning.
- Regex redaction: `redact` is some fixed function of the text. The Luhn check is not tied to the card pattern.
- The hourly rollup: documented as not idempotent under replay.
- The dead-letter drain tool: its behaviour on commit sits in a library.
- Fsync and torn renames: a crash may leave the offset file absent or at any earlier stored value, nothing else.
- The Go API's read-side cache and its middleware, creating keys, `revoke_key` in the Rust service (never called), `last_used_at` stamps.
- Redis evicting keys early or clock differences between Redis, Postgres and the services: one clock.
- Minting a token twice: tokens are random and taken to be minted once.
- RevokeKey: the answer to a failed Postgres UPDATE (500) and the checks on claims are not in the method; an UPDATE that commits without invalidation following is a run of the protocol.
- The request timeout of the ingest service: it appears as cancellation at any point, with a cache write possibly still on the wire.
- Alerts: notifications, deleting and disabling rules, the checks at creation other than the threshold's, and the metric SQL; a reading is an arbitrary real. The FNV hash is an arbitrary function, so colliding lock keys are covered.
- Alerts: the lock's session is assumed alive for one evaluation.
- Floating point: costs, rectangles and thresholds are reals; NaN and infinities do not occur.
- Treemap: the library sort is not modelled, a sorted list is the premise of the property about it.
- TraceEmission: `Parallel` emits its branches' rows left before right; interleaved emission is not modelled. Latency, timestamps, status detail and the other row fields are left out.
- PyTracing: per-call overrides of `record_llm_call`, `feature_name` arguments, `user_id` and `session_id`, which are not inherited.
- PyTracing: exceptions outside Python's `Exception` (KeyboardInterrupt, CancelledError), after which a block's row keeps the status success; the model marks it failed.
- TraceEmission: the bare `trace` that `sdks/typescript/src/index.ts:269` also exports; its blocks emit no row, so a program that uses it has parent ids without a row.
- `sdk.span()` and the Python provider instrumentations: the first emits no row by design, the second sets no customer.
- Streaming calls: one call is one row.
- CircularBuffer: a capacity of zero, where the source's index arithmetic yields NaN.
- Exporter: a transport that calls back into `flush` while it is being started, and fractional or infinite sizes.
- Exporter: clocks; whether a deadline has passed is free at every test, backoff lengths and `Retry-After` are not modelled.
- PyExporter: the flush signal, which only changes when the thread wakes; the noop mode; the HTTP client closed under a late batch, which is one more way to fail to deliver.
- PyExporter.Run: bounded by a number of turns before shutdown, since the loop itself need not end.
- Luhn: Python's `isdigit` accepts digits outside ASCII; texts are taken to have none.
- The Python pricing table's prefix match, dashboards other than the two components, configuration checks, seeding.
